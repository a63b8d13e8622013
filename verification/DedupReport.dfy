/** The report of the repeat analysis (src/tok/analysis/dedup_frontier.py): one summary for each source,
    and one for all of them. The two are computed differently; they must add up. */
module DedupReport {
  import opened Text
  import opened DedupFrontier

  datatype Turn = Turn(benign: bool, blocked: bool, reverted: bool)

  datatype BridgeLog = BridgeLog(benignCuts: nat, cliffs: nat, reverts: nat)

  // ---------- Comprehensions ----------

  /** `[x for x in s if p(x)]` */
  function Filter<T>(s: seq<T>, p: T -> bool): (r: seq<T>)
    ensures |r| == Count(s, p)
  {
    if s == [] then [] else Filter(s[..|s| - 1], p) + if p(s[|s| - 1]) then [s[|s| - 1]] else []
  }

  /** `sum(f(x) for x in s)` */
  function Sum<T>(s: seq<T>, f: T -> nat): nat {
    if s == [] then 0 else Sum(s[..|s| - 1], f) + f(s[|s| - 1])
  }

  /** `sum(1 for x in s if p(x))` */
  function Count<T>(s: seq<T>, p: T -> bool): nat {
    if s == [] then 0 else Count(s[..|s| - 1], p) + if p(s[|s| - 1]) then 1 else 0
  }

  function CountOf<K>(counter: map<K, nat>, k: K): nat {
    if k in counter then counter[k] else 0
  }

  function Bump<K>(counter: map<K, nat>, k: K): map<K, nat> {
    counter[k := CountOf(counter, k) + 1]
  }

  /** `Counter(o.miss_reason for o in rows if o.miss_reason is not None)` */
  function ReasonCounter(rows: seq<Opportunity>): map<string, nat> {
    if rows == [] then map[]
    else
      var before, o := ReasonCounter(rows[..|rows| - 1]), rows[|rows| - 1];
      if o.missReason.Some? then Bump(before, o.missReason.value) else before
  }

  /** `{reason: counter.get(reason, 0) for reason in taxonomy}` */
  function ByTaxonomy(counter: map<string, nat>): map<string, nat> {
    map reason | reason in TAXONOMY :: CountOf(counter, reason)
  }

  // ---------- The summary of one source ----------

  predicate TrustedRepeat(o: Opportunity) {
    o.trusted && o.repeatExists
  }

  predicate IsHit(o: Opportunity) {
    o.event.outcome == ExactDedupHit
  }

  predicate IsTrustedHit(o: Opportunity) {
    o.trusted && o.repeatExists && o.event.outcome == ExactDedupHit
  }

  predicate IsCacheHit(o: Opportunity) {
    o.event.outcome == CacheHit
  }

  predicate IsDiff(o: Opportunity) {
    o.event.outcome == DiffCompression
  }

  predicate IsActionable(o: Opportunity) {
    o.actionable
  }

  function HeadroomOf(o: Opportunity): nat {
    o.headroom
  }

  function IncrementalOf(o: Opportunity): nat {
    o.incremental
  }

  function TrustedIncrementalOf(o: Opportunity): nat {
    if TrustedRepeat(o) then o.incremental else 0
  }

  function ActionableIncrementalOf(o: Opportunity): nat {
    if o.actionable then o.incremental else 0
  }

  predicate IsBenign(t: Turn) {
    t.benign
  }

  predicate IsCliff(t: Turn) {
    t.blocked && !t.benign
  }

  predicate IsReverted(t: Turn) {
    t.reverted
  }

  datatype SourceSummary = SourceSummary(
    turns: nat, opportunities: nat, trusted: nat, hits: nat, trustedHits: nat, cacheHits: nat, diffs: nat,
    headroom: nat, incremental: nat, trustedIncremental: nat, actionable: nat,
    benignCuts: nat, cliffs: nat, reverts: nat, misses: map<string, nat>)

  function SummarizeSource(rows: seq<Opportunity>, turns: seq<Turn>): SourceSummary {
    SourceSummary(
      |turns|, |rows|, Count(rows, TrustedRepeat), Count(rows, IsHit), Count(rows, IsTrustedHit),
      Count(rows, IsCacheHit), Count(rows, IsDiff),
      Sum(rows, HeadroomOf), Sum(rows, IncrementalOf), Sum(rows, TrustedIncrementalOf), Sum(rows, ActionableIncrementalOf),
      Count(turns, IsBenign), Count(turns, IsCliff), Count(turns, IsReverted), ByTaxonomy(ReasonCounter(rows)))
  }

  // ---------- The summary of the report ----------

  datatype Counters = Counters(
    outcomes: map<Outcome, nat>, trustedOutcomes: map<Outcome, nat>,
    misses: map<string, nat>, trustedMisses: map<string, nat>)

  datatype Summary = Summary(
    opportunities: nat, trusted: nat, hits: nat, trustedHits: nat,
    outcomes: map<Outcome, nat>, trustedOutcomes: map<Outcome, nat>,
    misses: map<string, nat>, trustedMisses: map<string, nat>,
    headroom: nat, incremental: nat, trustedIncremental: nat, actionable: nat,
    benignCuts: nat, cliffs: nat, reverts: nat)

  /** How much one opportunity adds to a counter. */
  function OutcomeWeight(x: Outcome, o: Opportunity): nat {
    if o.event.outcome == x then 1 else 0
  }

  function ReasonWeight(x: string, o: Opportunity): nat {
    if o.missReason == Some(x) then 1 else 0
  }

  function Outcomes(rows: seq<Opportunity>, x: Outcome, trustedOnly: bool): nat {
    if rows == [] then 0
    else
      var o := rows[|rows| - 1];
      Outcomes(rows[..|rows| - 1], x, trustedOnly) + if trustedOnly && !TrustedRepeat(o) then 0 else OutcomeWeight(x, o)
  }

  function Reasons(rows: seq<Opportunity>, x: string, trustedOnly: bool): nat {
    if rows == [] then 0
    else
      var o := rows[|rows| - 1];
      Reasons(rows[..|rows| - 1], x, trustedOnly) + if trustedOnly && !TrustedRepeat(o) then 0 else ReasonWeight(x, o)
  }

  ghost predicate CountsOutcomes(c: Counters, rows: seq<Opportunity>) {
    forall x :: CountOf(c.outcomes, x) == Outcomes(rows, x, false) && CountOf(c.trustedOutcomes, x) == Outcomes(rows, x, true)
  }

  ghost predicate CountsReasons(c: Counters, rows: seq<Opportunity>) {
    forall x :: CountOf(c.misses, x) == Reasons(rows, x, false) && CountOf(c.trustedMisses, x) == Reasons(rows, x, true)
  }

  lemma OutcomeCounted(c: Counters, r: Counters, rows: seq<Opportunity>, o: Opportunity)
    requires CountsOutcomes(c, rows) && r.outcomes == Bump(c.outcomes, o.event.outcome)
    requires r.trustedOutcomes == if TrustedRepeat(o) then Bump(c.trustedOutcomes, o.event.outcome) else c.trustedOutcomes
    ensures CountsOutcomes(r, rows + [o])
  {
    assert (rows + [o])[..|rows|] == rows;
  }

  lemma ReasonCounted(c: Counters, r: Counters, rows: seq<Opportunity>, o: Opportunity)
    requires CountsReasons(c, rows)
    requires r.misses == if o.missReason.Some? then Bump(c.misses, o.missReason.value) else c.misses
    requires r.trustedMisses
             == if o.missReason.Some? && TrustedRepeat(o) then Bump(c.trustedMisses, o.missReason.value) else c.trustedMisses
    ensures CountsReasons(r, rows + [o])
  {
    assert (rows + [o])[..|rows|] == rows;
  }

  /** The summary's loop over the opportunities. */
  method CountOpportunities(rows: seq<Opportunity>) returns (c: Counters)
    ensures CountsOutcomes(c, rows) && CountsReasons(c, rows)
  {
    c := Counters(map[], map[], map[], map[]);
    for n := 0 to |rows|
      invariant CountsOutcomes(c, rows[..n]) && CountsReasons(c, rows[..n])
    {
      var o, r := rows[n], c;
      r := r.(outcomes := Bump(r.outcomes, o.event.outcome));
      if o.missReason.Some? {
        r := r.(misses := Bump(r.misses, o.missReason.value));
        if TrustedRepeat(o) {
          r := r.(trustedMisses := Bump(r.trustedMisses, o.missReason.value));
        }
      }
      if TrustedRepeat(o) {
        r := r.(trustedOutcomes := Bump(r.trustedOutcomes, o.event.outcome));
      }
      OutcomeCounted(c, r, rows[..n], o);
      ReasonCounted(c, r, rows[..n], o);
      TakeNext(rows, n);
      c := r;
    }
    TakeAll(rows);
  }

  // ---------- The fields both summaries report ----------

  datatype Field =
    | Opportunities | Trusted | Hits | TrustedHits | CacheHits | Diffs
    | Headroom | Incremental | TrustedIncremental | Actionable
    | BenignCuts | Cliffs | Reverts | Misses(reason: string)

  function SourceField(s: SourceSummary, f: Field): nat {
    match f
    case Opportunities => s.opportunities
    case Trusted => s.trusted
    case Hits => s.hits
    case TrustedHits => s.trustedHits
    case CacheHits => s.cacheHits
    case Diffs => s.diffs
    case Headroom => s.headroom
    case Incremental => s.incremental
    case TrustedIncremental => s.trustedIncremental
    case Actionable => s.actionable
    case BenignCuts => s.benignCuts
    case Cliffs => s.cliffs
    case Reverts => s.reverts
    case Misses(reason) => CountOf(s.misses, reason)
  }

  /** Cache hits and diffs stand in the outcome counts of the report. */
  function SummaryField(s: Summary, f: Field): nat {
    match f
    case Opportunities => s.opportunities
    case Trusted => s.trusted
    case Hits => s.hits
    case TrustedHits => s.trustedHits
    case CacheHits => CountOf(s.outcomes, CacheHit)
    case Diffs => CountOf(s.outcomes, DiffCompression)
    case Headroom => s.headroom
    case Incremental => s.incremental
    case TrustedIncremental => s.trustedIncremental
    case Actionable => s.actionable
    case BenignCuts => s.benignCuts
    case Cliffs => s.cliffs
    case Reverts => s.reverts
    case Misses(reason) => CountOf(s.misses, reason)
  }

  /** What one opportunity, one turn and one bridge log add to a field. */
  function RowWeight(f: Field, o: Opportunity): nat {
    match f
    case Opportunities => 1
    case Trusted => if TrustedRepeat(o) then 1 else 0
    case Hits => if IsHit(o) then 1 else 0
    case TrustedHits => if IsTrustedHit(o) then 1 else 0
    case CacheHits => if IsCacheHit(o) then 1 else 0
    case Diffs => if IsDiff(o) then 1 else 0
    case Headroom => o.headroom
    case Incremental => o.incremental
    case TrustedIncremental => TrustedIncrementalOf(o)
    case Actionable => ActionableIncrementalOf(o)
    case Misses(reason) => if reason in TAXONOMY then ReasonWeight(reason, o) else 0
    case _ => 0
  }

  function TurnWeight(f: Field, t: Turn): nat {
    match f
    case BenignCuts => if t.benign then 1 else 0
    case Cliffs => if t.blocked && !t.benign then 1 else 0
    case Reverts => if t.reverted then 1 else 0
    case _ => 0
  }

  function LogWeight(f: Field, l: BridgeLog): nat {
    match f
    case BenignCuts => l.benignCuts
    case Cliffs => l.cliffs
    case Reverts => l.reverts
    case _ => 0
  }

  function RowTotal(f: Field, rows: seq<Opportunity>): nat {
    if rows == [] then 0 else RowTotal(f, rows[..|rows| - 1]) + RowWeight(f, rows[|rows| - 1])
  }

  function TurnTotal(f: Field, turns: seq<Turn>): nat {
    if turns == [] then 0 else TurnTotal(f, turns[..|turns| - 1]) + TurnWeight(f, turns[|turns| - 1])
  }

  function LogTotal(f: Field, logs: seq<BridgeLog>): nat {
    if logs == [] then 0 else LogTotal(f, logs[..|logs| - 1]) + LogWeight(f, logs[|logs| - 1])
  }

  // ---------- What each computation comes to ----------

  lemma {:induction false} CountIsTotal(f: Field, rows: seq<Opportunity>, p: Opportunity -> bool)
    requires forall o :: RowWeight(f, o) == if p(o) then 1 else 0
    ensures RowTotal(f, rows) == Count(rows, p)
  {
    if rows != [] {
      CountIsTotal(f, rows[..|rows| - 1], p);
    }
  }

  lemma {:induction false} SumIsTotal(f: Field, rows: seq<Opportunity>, w: Opportunity -> nat)
    requires forall o :: RowWeight(f, o) == w(o)
    ensures RowTotal(f, rows) == Sum(rows, w)
  {
    if rows != [] {
      SumIsTotal(f, rows[..|rows| - 1], w);
    }
  }

  lemma {:induction false} FilteredSumIsTotal(f: Field, rows: seq<Opportunity>, p: Opportunity -> bool, w: Opportunity -> nat)
    requires forall o :: RowWeight(f, o) == if p(o) then w(o) else 0
    ensures RowTotal(f, rows) == Sum(Filter(rows, p), w)
  {
    if rows != [] {
      var before := rows[..|rows| - 1];
      FilteredSumIsTotal(f, before, p, w);
      assert Filter(before, p) + [] == Filter(before, p);
      SumSnoc(Filter(before, p), rows[|rows| - 1], w);
    }
  }

  lemma SumSnoc<T>(s: seq<T>, x: T, w: T -> nat)
    ensures Sum(s + [x], w) == Sum(s, w) + w(x)
  {
    assert (s + [x])[..|s|] == s;
  }

  lemma {:induction false} NoWeight(f: Field, rows: seq<Opportunity>)
    requires forall o :: RowWeight(f, o) == 0
    ensures RowTotal(f, rows) == 0
  {
    if rows != [] {
      NoWeight(f, rows[..|rows| - 1]);
    }
  }

  lemma {:induction false} TurnCountIsTotal(f: Field, turns: seq<Turn>, p: Turn -> bool)
    requires forall t :: TurnWeight(f, t) == if p(t) then 1 else 0
    ensures TurnTotal(f, turns) == Count(turns, p)
  {
    if turns != [] {
      TurnCountIsTotal(f, turns[..|turns| - 1], p);
    }
  }

  lemma {:induction false} NoTurnWeight(f: Field, turns: seq<Turn>)
    requires forall t :: TurnWeight(f, t) == 0
    ensures TurnTotal(f, turns) == 0
  {
    if turns != [] {
      NoTurnWeight(f, turns[..|turns| - 1]);
    }
  }

  lemma {:induction false} CounterIsTotal(reason: string, rows: seq<Opportunity>)
    ensures CountOf(ReasonCounter(rows), reason) == Reasons(rows, reason, false)
  {
    if rows != [] {
      CounterIsTotal(reason, rows[..|rows| - 1]);
    }
  }

  lemma {:induction false} ReasonsAreTotal(reason: string, rows: seq<Opportunity>)
    ensures RowTotal(Misses(reason), rows) == if reason in TAXONOMY then Reasons(rows, reason, false) else 0
  {
    if rows != [] {
      ReasonsAreTotal(reason, rows[..|rows| - 1]);
    }
  }

  lemma {:induction false} OutcomesAreTotal(rows: seq<Opportunity>)
    ensures RowTotal(Hits, rows) == Outcomes(rows, ExactDedupHit, false)
    ensures RowTotal(TrustedHits, rows) == Outcomes(rows, ExactDedupHit, true)
    ensures RowTotal(CacheHits, rows) == Outcomes(rows, CacheHit, false)
    ensures RowTotal(Diffs, rows) == Outcomes(rows, DiffCompression, false)
  {
    if rows != [] {
      OutcomesAreTotal(rows[..|rows| - 1]);
    }
  }

  /** Each field of a source's summary is what its opportunities and turns add up to. */
  lemma SourceIsTotal(rows: seq<Opportunity>, turns: seq<Turn>, f: Field)
    ensures SourceField(SummarizeSource(rows, turns), f) == RowTotal(f, rows) + TurnTotal(f, turns)
  {
    SourceRows(rows, turns, f);
    SourceTurns(rows, turns, f);
  }

  predicate OfTurns(f: Field) {
    f.BenignCuts? || f.Cliffs? || f.Reverts?
  }

  lemma SourceRows(rows: seq<Opportunity>, turns: seq<Turn>, f: Field)
    ensures if OfTurns(f) then RowTotal(f, rows) == 0 else SourceField(SummarizeSource(rows, turns), f) == RowTotal(f, rows)
  {
    match f
    case Opportunities => EachCounts(rows);
    case Trusted => CountIsTotal(f, rows, TrustedRepeat);
    case Hits => CountIsTotal(f, rows, IsHit);
    case TrustedHits => CountIsTotal(f, rows, IsTrustedHit);
    case CacheHits => CountIsTotal(f, rows, IsCacheHit);
    case Diffs => CountIsTotal(f, rows, IsDiff);
    case Headroom => SumIsTotal(f, rows, HeadroomOf);
    case Incremental => SumIsTotal(f, rows, IncrementalOf);
    case TrustedIncremental => SumIsTotal(f, rows, TrustedIncrementalOf);
    case Actionable => SumIsTotal(f, rows, ActionableIncrementalOf);
    case Misses(reason) =>
      ReasonsAreTotal(reason, rows);
      CounterIsTotal(reason, rows);
    case _ => NoWeight(f, rows);
  }

  lemma {:induction false} EachCounts(rows: seq<Opportunity>)
    ensures RowTotal(Opportunities, rows) == |rows|
  {
    if rows != [] {
      EachCounts(rows[..|rows| - 1]);
    }
  }

  lemma SourceTurns(rows: seq<Opportunity>, turns: seq<Turn>, f: Field)
    ensures if OfTurns(f) then SourceField(SummarizeSource(rows, turns), f) == TurnTotal(f, turns) else TurnTotal(f, turns) == 0
  {
    match f
    case BenignCuts => TurnCountIsTotal(f, turns, IsBenign);
    case Cliffs => TurnCountIsTotal(f, turns, IsCliff);
    case Reverts => TurnCountIsTotal(f, turns, IsReverted);
    case _ => NoTurnWeight(f, turns);
  }

  ghost predicate Summarizes(s: Summary, rows: seq<Opportunity>, turns: seq<Turn>, logs: seq<BridgeLog>) {
    forall f :: SummaryField(s, f) == RowTotal(f, rows) + TurnTotal(f, turns) + LogTotal(f, logs)
  }

  function BenignCutsOf(l: BridgeLog): nat {
    l.benignCuts
  }

  function CliffsOf(l: BridgeLog): nat {
    l.cliffs
  }

  function RevertsOf(l: BridgeLog): nat {
    l.reverts
  }

  lemma {:induction false} LogSumIsTotal(f: Field, logs: seq<BridgeLog>, w: BridgeLog -> nat)
    requires forall l :: LogWeight(f, l) == w(l)
    ensures LogTotal(f, logs) == Sum(logs, w)
  {
    if logs != [] {
      LogSumIsTotal(f, logs[..|logs| - 1], w);
    }
  }

  lemma {:induction false} NoLogWeight(f: Field, logs: seq<BridgeLog>)
    requires !OfTurns(f)
    ensures LogTotal(f, logs) == 0
  {
    if logs != [] {
      NoLogWeight(f, logs[..|logs| - 1]);
    }
  }

  /** The summary of all opportunities: counters from a loop, sums over filtered lists. */
  method BuildSummary(rows: seq<Opportunity>, turns: seq<Turn>, logs: seq<BridgeLog>) returns (s: Summary)
    ensures Summarizes(s, rows, turns, logs)
    ensures forall x :: CountOf(s.outcomes, x) == Outcomes(rows, x, false)
    ensures forall x :: CountOf(s.trustedOutcomes, x) == Outcomes(rows, x, true)
    ensures forall x :: CountOf(s.trustedMisses, x) == if x in TAXONOMY then Reasons(rows, x, true) else 0
  {
    var trusted, actionable := Filter(rows, TrustedRepeat), Filter(rows, IsActionable);
    var c := CountOpportunities(rows);
    s := Summary(
      |rows|, |trusted|, CountOf(c.outcomes, ExactDedupHit), CountOf(c.trustedOutcomes, ExactDedupHit),
      c.outcomes, c.trustedOutcomes, ByTaxonomy(c.misses), ByTaxonomy(c.trustedMisses),
      Sum(rows, HeadroomOf), Sum(rows, IncrementalOf), Sum(trusted, IncrementalOf), Sum(actionable, IncrementalOf),
      Count(turns, IsBenign) + Sum(logs, BenignCutsOf), Count(turns, IsCliff) + Sum(logs, CliffsOf),
      Count(turns, IsReverted) + Sum(logs, RevertsOf));
    forall f ensures SummaryField(s, f) == RowTotal(f, rows) + TurnTotal(f, turns) + LogTotal(f, logs) {
      SummaryTurns(s, f, turns, logs);
      if OfTurns(f) {
        NoWeight(f, rows);
      } else {
        SummaryRows(s, c, f, rows);
      }
    }
  }

  lemma SummaryRows(s: Summary, c: Counters, f: Field, rows: seq<Opportunity>)
    requires CountsOutcomes(c, rows) && CountsReasons(c, rows)
    requires s.opportunities == |rows| && s.trusted == |Filter(rows, TrustedRepeat)|
    requires s.hits == CountOf(c.outcomes, ExactDedupHit) && s.trustedHits == CountOf(c.trustedOutcomes, ExactDedupHit)
    requires s.outcomes == c.outcomes && s.misses == ByTaxonomy(c.misses)
    requires s.headroom == Sum(rows, HeadroomOf) && s.incremental == Sum(rows, IncrementalOf)
    requires s.trustedIncremental == Sum(Filter(rows, TrustedRepeat), IncrementalOf)
    requires s.actionable == Sum(Filter(rows, IsActionable), IncrementalOf)
    requires !OfTurns(f)
    ensures SummaryField(s, f) == RowTotal(f, rows)
  {
    match f
    case Opportunities => EachCounts(rows);
    case Trusted => CountIsTotal(f, rows, TrustedRepeat);
    case Headroom => SumIsTotal(f, rows, HeadroomOf);
    case Incremental => SumIsTotal(f, rows, IncrementalOf);
    case TrustedIncremental => FilteredSumIsTotal(f, rows, TrustedRepeat, IncrementalOf);
    case Actionable => FilteredSumIsTotal(f, rows, IsActionable, IncrementalOf);
    case Misses(reason) => ReasonsAreTotal(reason, rows);
    case _ => OutcomesAreTotal(rows);
  }

  lemma SummaryTurns(s: Summary, f: Field, turns: seq<Turn>, logs: seq<BridgeLog>)
    requires s.benignCuts == Count(turns, IsBenign) + Sum(logs, BenignCutsOf)
    requires s.cliffs == Count(turns, IsCliff) + Sum(logs, CliffsOf)
    requires s.reverts == Count(turns, IsReverted) + Sum(logs, RevertsOf)
    ensures if OfTurns(f) then SummaryField(s, f) == TurnTotal(f, turns) + LogTotal(f, logs)
            else TurnTotal(f, turns) == LogTotal(f, logs) == 0
  {
    match f
    case BenignCuts =>
      TurnCountIsTotal(f, turns, IsBenign);
      LogSumIsTotal(f, logs, BenignCutsOf);
    case Cliffs =>
      TurnCountIsTotal(f, turns, IsCliff);
      LogSumIsTotal(f, logs, CliffsOf);
    case Reverts =>
      TurnCountIsTotal(f, turns, IsReverted);
      LogSumIsTotal(f, logs, RevertsOf);
    case _ =>
      NoTurnWeight(f, turns);
      NoLogWeight(f, logs);
  }

  // ---------- The report adds up ----------

  /** The rows and turns of one source. */
  datatype Analyzed = Analyzed(rows: seq<Opportunity>, turns: seq<Turn>)

  function AllRows(sources: seq<Analyzed>): seq<Opportunity> {
    if sources == [] then [] else AllRows(sources[..|sources| - 1]) + sources[|sources| - 1].rows
  }

  function AllTurns(sources: seq<Analyzed>): seq<Turn> {
    if sources == [] then [] else AllTurns(sources[..|sources| - 1]) + sources[|sources| - 1].turns
  }

  /** A field, summed over the summaries of the sources. */
  function SumOfField(f: Field, summaries: seq<SourceSummary>): nat {
    if summaries == [] then 0
    else SumOfField(f, summaries[..|summaries| - 1]) + SourceField(summaries[|summaries| - 1], f)
  }

  lemma {:induction false} RowTotalConcat(f: Field, a: seq<Opportunity>, b: seq<Opportunity>)
    ensures RowTotal(f, a + b) == RowTotal(f, a) + RowTotal(f, b)
    decreases |b|
  {
    if b == [] {
      assert a + b == a;
    } else {
      var n := |b| - 1;
      assert (a + b)[..|a| + n] == a + b[..n] && (a + b)[|a| + n] == b[n];
      RowTotalConcat(f, a, b[..n]);
    }
  }

  lemma {:induction false} TurnTotalConcat(f: Field, a: seq<Turn>, b: seq<Turn>)
    ensures TurnTotal(f, a + b) == TurnTotal(f, a) + TurnTotal(f, b)
    decreases |b|
  {
    if b == [] {
      assert a + b == a;
    } else {
      var n := |b| - 1;
      assert (a + b)[..|a| + n] == a + b[..n] && (a + b)[|a| + n] == b[n];
      TurnTotalConcat(f, a, b[..n]);
    }
  }

  /** The accumulated lists hold what the summaries emitted so far add up to. */
  ghost predicate AddsUp(rows: seq<Opportunity>, turns: seq<Turn>, summaries: seq<SourceSummary>) {
    forall f :: RowTotal(f, rows) + TurnTotal(f, turns) == SumOfField(f, summaries)
  }

  lemma SourceAdded(rows: seq<Opportunity>, turns: seq<Turn>, summaries: seq<SourceSummary>, a: Analyzed)
    requires AddsUp(rows, turns, summaries)
    ensures AddsUp(rows + a.rows, turns + a.turns, summaries + [SummarizeSource(a.rows, a.turns)])
  {
    var more := summaries + [SummarizeSource(a.rows, a.turns)];
    assert more[..|summaries|] == summaries;
    forall f ensures RowTotal(f, rows + a.rows) + TurnTotal(f, turns + a.turns) == SumOfField(f, more) {
      RowTotalConcat(f, rows, a.rows);
      TurnTotalConcat(f, turns, a.turns);
      SourceIsTotal(a.rows, a.turns, f);
    }
  }

  /** The report: every field of its summary is the sum of that field over the source summaries it
      emits, and of the bridge logs' counts. */
  method MakeReport(sources: seq<Analyzed>, logs: seq<BridgeLog>) returns (summaries: seq<SourceSummary>, s: Summary)
    ensures |summaries| == |sources|
    ensures forall i :: 0 <= i < |sources| ==> summaries[i] == SummarizeSource(sources[i].rows, sources[i].turns)
    ensures Summarizes(s, AllRows(sources), AllTurns(sources), logs)
    ensures forall f :: SummaryField(s, f) == SumOfField(f, summaries) + LogTotal(f, logs)
  {
    var rows: seq<Opportunity>, turns: seq<Turn> := [], [];
    summaries := [];
    for n := 0 to |sources|
      invariant |summaries| == n
      invariant forall i :: 0 <= i < n ==> summaries[i] == SummarizeSource(sources[i].rows, sources[i].turns)
      invariant rows == AllRows(sources[..n]) && turns == AllTurns(sources[..n])
      invariant AddsUp(rows, turns, summaries)
    {
      SourceAdded(rows, turns, summaries, sources[n]);
      assert sources[..n + 1][..n] == sources[..n];
      turns := turns + sources[n].turns;
      rows := rows + sources[n].rows;
      summaries := summaries + [SummarizeSource(sources[n].rows, sources[n].turns)];
    }
    assert sources[..|sources|] == sources;
    s := BuildSummary(rows, turns, logs);
  }

  // ---------- The miss histogram ----------

  function HistogramTotal(misses: map<string, nat>, reasons: seq<string>): nat {
    if reasons == [] then 0
    else HistogramTotal(misses, reasons[..|reasons| - 1]) + CountOf(misses, reasons[|reasons| - 1])
  }

  function WithReason(rows: seq<Opportunity>): nat {
    if rows == [] then 0
    else WithReason(rows[..|rows| - 1]) + if rows[|rows| - 1].missReason.Some? then 1 else 0
  }

  predicate AllKnown(rows: seq<Opportunity>) {
    forall i :: 0 <= i < |rows| && rows[i].missReason.Some? ==> rows[i].missReason.value in TAXONOMY
  }

  predicate NoRepeats(s: seq<string>) {
    forall i, j :: 0 <= i < j < |s| ==> s[i] != s[j]
  }

  /** The taxonomy names no reason twice. */
  lemma TaxonomyDistinct()
    ensures NoRepeats(TAXONOMY)
  {
    var lengths := [10, 15, 15, 16, 21, 20, 25, 18];
    assert |TAXONOMY| == |lengths| && TAXONOMY[1][0] != TAXONOMY[2][0];
    assert forall i :: 0 <= i < |lengths| ==> |TAXONOMY[i]| == lengths[i];
  }

  /** Counting one more reason counts in one place of the histogram, if it has a place. */
  lemma {:induction false} HistogramBump(misses: map<string, nat>, reason: string, reasons: seq<string>)
    requires NoRepeats(reasons)
    ensures HistogramTotal(Bump(misses, reason), reasons)
            == HistogramTotal(misses, reasons) + if reason in reasons then 1 else 0
    decreases |reasons|
  {
    if reasons != [] {
      HistogramBump(misses, reason, reasons[..|reasons| - 1]);
      assert reasons == reasons[..|reasons| - 1] + [reasons[|reasons| - 1]];
    }
  }

  lemma {:induction false} HistogramOfNone(reasons: seq<string>)
    ensures HistogramTotal(map[], reasons) == 0
  {
    if reasons != [] {
      HistogramOfNone(reasons[..|reasons| - 1]);
    }
  }

  lemma {:induction false} HistogramKeeps(misses: map<string, nat>, reasons: seq<string>)
    requires forall r <- reasons :: r in TAXONOMY
    ensures HistogramTotal(ByTaxonomy(misses), reasons) == HistogramTotal(misses, reasons)
  {
    if reasons != [] {
      var n := |reasons| - 1;
      assert reasons == reasons[..n] + [reasons[n]];
      HistogramKeeps(misses, reasons[..n]);
      assert reasons[n] in TAXONOMY;
    }
  }

  lemma {:induction false} CounterExact(rows: seq<Opportunity>)
    ensures HistogramTotal(ReasonCounter(rows), TAXONOMY) <= WithReason(rows)
    ensures HistogramTotal(ReasonCounter(rows), TAXONOMY) == WithReason(rows) <==> AllKnown(rows)
  {
    TaxonomyDistinct();
    if rows == [] {
      HistogramOfNone(TAXONOMY);
    } else {
      var before, o := rows[..|rows| - 1], rows[|rows| - 1];
      CounterExact(before);
      assert rows == before + [o];
      if o.missReason.Some? {
        HistogramBump(ReasonCounter(before), o.missReason.value, TAXONOMY);
      }
    }
  }

  /** The emitted histogram accounts for every row with a reason exactly if all reasons are in the taxonomy. */
  lemma HistogramExact(rows: seq<Opportunity>, turns: seq<Turn>)
    ensures HistogramTotal(SummarizeSource(rows, turns).misses, TAXONOMY) == WithReason(rows) <==> AllKnown(rows)
  {
    CounterExact(rows);
    HistogramKeeps(ReasonCounter(rows), TAXONOMY);
  }

  /** The rows of the analysis give only reasons of the taxonomy, so nothing is missing from it. */
  lemma HistogramComplete(minChars: nat, source: Source, events: seq<Event>, rows: seq<Opportunity>, turns: seq<Turn>)
    ensures ReportsAll(minChars, source, events, rows) ==>
              AllKnown(rows) && HistogramTotal(SummarizeSource(rows, turns).misses, TAXONOMY) == WithReason(rows)
  {
    if ReportsAll(minChars, source, events, rows) {
      forall i | 0 <= i < |rows| && rows[i].missReason.Some? ensures rows[i].missReason.value in TAXONOMY {
        ReportsAt(minChars, source, events, rows, i);
        ReasonInTaxonomy(minChars, NaivePrior(events[..i], events[i]), events[i]);
      }
    }
    HistogramExact(rows, turns);
  }
}
